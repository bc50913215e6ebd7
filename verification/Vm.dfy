/** vm.c: page tables.  A page table is the page number of its root frame; a pte_t
    pointer is the frame and the index that it points into. */
module Vm {
  import opened Types
  import opened Riscv
  import opened Phys
  import opened PhysUpdate
  import opened Kalloc
  import opened Tables

  datatype Slot = Null | At(t: nat, i: nat)

  // ---- what an operation on the tree at r may do to the rest of memory

  /** No frame changes hands except free frames that become page-table pages of
      tree r, only those pages and that tree's are written, and no map changes. */
  ghost predicate Grow(s: Snap, s': Snap, r: nat) {
    && |s'.own| == |s.own| && |s'.mem| == |s.mem| && s'.lo == s.lo
    && (forall f :: 0 <= f < |s.own| ==> s'.own[f] == s.own[f] || (s.own[f] == Free && IsTab(s'.own[f], r)))
    && (forall f :: 0 <= f < |s.own| == |s.mem| && s.own[f] != Free && !IsTab(s.own[f], r) ==> s'.mem[f] == s.mem[f])
    && SameMaps(s, s')
  }

  /** Popping a frame and installing it under a page-table page of tree r. */
  lemma AddTable(s: Snap, t: nat, i: nat, v: nat)
    requires Inv(s) && s.free != [] && t < |s.own| && s.own[t].Tab? && 0 < s.own[t].level <= 2
    requires v < MAXVPN && s.own[t].prefix == Prefix(s.own[t].level, v) && i == Idx(s.own[t].level, v)
    requires !Entry(s.mem, t, i).flags.v
    ensures s.free[0] < |s.mem| && HasEntry(Popped(s), t, i) && s.free[0] != t
    ensures var s' := Installed(Popped(s), t, i, s.free[0]); var r, l := s.own[t].root, s.own[t].level - 1;
            && Inv(s') && Grow(s, s', r)
            && TableAt(s'.mem, r, v, l) == Some(s.free[0])
            && Missing(s'.mem, r, v) == Missing(s.mem, r, v) - 1 == l
            && LaidOne(s.mem, s'.mem, r, v, l)
            && |s'.free| == |s.free| - 1
  {
    AddTableLaid(s, t, i, v);
    var c := s.free[0];
    assert c in s.free;
    TablePage(s, t);
    PrefixStep(s.own[t].level, v);
    PopKeeps(s);
    InstallKeeps(Popped(s), t, i, c);
    var s' := Installed(Popped(s), t, i, c);
    OwnerTableAt(s, t, v);
    assert Inv(s');
    hide Inv, SameMaps, LaidOne;
    OwnerTableAt(s', c, v);
    assert Entry(s'.mem, c, Idx(s.own[t].level - 1, v)) == ZEROPTE;
    SameMapsTrans(s, Popped(s), s');
  }

  lemma AddTableLaid(s: Snap, t: nat, i: nat, v: nat)
    requires Inv(s) && s.free != [] && t < |s.own| && s.own[t].Tab? && 0 < s.own[t].level <= 2
    requires v < MAXVPN && s.own[t].prefix == Prefix(s.own[t].level, v) && i == Idx(s.own[t].level, v)
    requires !Entry(s.mem, t, i).flags.v
    ensures s.free[0] < |s.mem| && HasEntry(Popped(s), t, i) && s.free[0] != t
    ensures LaidOne(s.mem, Installed(Popped(s), t, i, s.free[0]).mem, s.own[t].root, v, s.own[t].level - 1)
  {
    var c, r := s.free[0], s.own[t].root;
    assert c in s.free;
    TablePage(s, t);
    PrefixStep(s.own[t].level, v);
    PopKeeps(s);
    InstallKeeps(Popped(s), t, i, c);
    OwnerTableAt(s, t, v);
    var s' := Installed(Popped(s), t, i, c);
    assert IsRoot(s', r) && s'.own == s.own[c := s'.own[c]];
    hide Inv, SameMaps;
    forall u, l: nat | 0 <= u < MAXVPN && l <= 1
      ensures TableAt(s'.mem, r, u, l).Some? <==>
                TableAt(s.mem, r, u, l).Some? || (l == s.own[t].level - 1 && Prefix(l, u) == Prefix(l, v))
    {
      TabsByOwner(s, s', r, u, l, c);
    }
  }

  lemma SameMapsTrans(s: Snap, s1: Snap, s2: Snap)
    requires SameMaps(s, s1) && SameMaps(s1, s2)
    requires forall r :: IsRoot(s, r) ==> IsRoot(s1, r)
    ensures SameMaps(s, s2)
  {
    hide Lookup;
  }

  /** The else branch of walk's loop: a zeroed page-table page behind the empty entry i of t. */
  method NewTable(k: Kmem, t: nat, i: nat, ghost v: nat) returns (page: nat)
    requires Inv(k.G()) && t < |k.own| && k.own[t].Tab? && 0 < k.own[t].level <= 2
    requires v < MAXVPN && k.own[t].prefix == Prefix(k.own[t].level, v) && i == Idx(k.own[t].level, v)
    requires !Entry(k.mem[..], t, i).flags.v
    modifies k, k.mem
    ensures page == 0 <==> old(k.free) == []
    ensures page == 0 ==> k.G() == old(k.G())
    ensures var r, l := old(k.own[t].root), old(k.own[t].level) - 1; page != 0 ==>
              && Inv(k.G()) && Grow(old(k.G()), k.G(), r)
              && TableAt(k.mem[..], r, v, l) == Some(page)
              && Missing(k.mem[..], r, v) == Missing(old(k.mem[..]), r, v) - 1
              && LaidOne(old(k.mem[..]), k.mem[..], r, v, l)
              && |k.free| == |old(k.free)| - 1
  {
    ghost var s := k.G();
    InvFreeList(s);
    if s.free != [] { AddTable(s, t, i, v); }
    hide Inv, FreeListOk, Grow, TableAt, Missing, LaidOne;
    page := k.Kalloc();
    if page != 0 {
      k.mem[page] := ZeroTable();
      k.mem[t] := Table(k.mem[t].ptes[i := Pointer(page)]);
      k.own := k.own[page := Tab(s.own[t].root, s.own[t].level - 1, t, s.own[t].prefix * 512 + i)];
      assert k.G() == Installed(Popped(s), t, i, page);
    }
  }

  lemma GrowRefl(s: Snap, r: nat)
    ensures Grow(s, s, r)
  {
  }

  /** Growth leaves roots roots. */
  lemma GrowRoot(s: Snap, s': Snap, r: nat, r2: nat)
    requires Grow(s, s', r) && IsRoot(s, r2)
    ensures IsRoot(s', r2)
  {
  }

  lemma GrowTrans(s: Snap, s1: Snap, s2: Snap, r: nat)
    requires Grow(s, s1, r) && Grow(s1, s2, r)
    ensures Grow(s, s2, r)
  {
    forall f | 0 <= f < |s.own| == |s.mem| && s.own[f] != Free && !IsTab(s.own[f], r) ensures s2.mem[f] == s.mem[f] {
      assert s1.own[f] == s.own[f];
    }
    forall r2, v | IsRoot(s, r2) && 0 <= v < MAXVPN ensures Lookup(s2.mem, r2, v) == Lookup(s.mem, r2, v) {
      assert IsRoot(s1, r2);
    }
  }

  method Walk(k: Kmem, root: nat, va: uint64, alloc: bool) returns (pte: Slot)
    requires Inv(k.G()) && IsRoot(k.G(), root)
    requires va < MAXVA  // panic("walk")
    modifies k, k.mem
    ensures Inv(k.G()) && Grow(old(k.G()), k.G(), root)
    ensures !alloc ==> k.G() == old(k.G())
    ensures TableAt(k.mem[..], root, va / PGSIZE, 0) == if pte.At? then Some(pte.t) else None
    ensures pte.At? ==> pte.i == Idx(0, va / PGSIZE)
    ensures alloc ==> (pte.Null? <==> |old(k.free)| < Missing(old(k.mem[..]), root, va / PGSIZE))
    ensures alloc ==> |k.free| == if pte.Null? then 0 else |old(k.free)| - Missing(old(k.mem[..]), root, va / PGSIZE)
    ensures alloc && pte.At? ==> Laid(old(k.mem[..]), k.mem[..], root, va / PGSIZE, 1)
  {
    hide Inv, Grow, LaidDown, LaidOne, Laid;
    var pagetable := root;
    var level := 2;
    ghost var v := va / PGSIZE;
    ghost var s0 := k.G();
    GrowRefl(s0, root);
    DownStart(s0.mem, root, v);
    while level > 0
      invariant 0 <= level <= 2
      invariant Inv(k.G()) && Grow(s0, k.G(), root) && IsRoot(k.G(), root)
      invariant !alloc ==> k.G() == s0
      invariant TableAt(k.mem[..], root, v, level) == Some(pagetable)
      invariant LaidDown(s0.mem, k.mem[..], root, v, level)
      invariant |k.free| - Missing(k.mem[..], root, v) == |s0.free| - Missing(s0.mem, root, v)
    {
      ghost var s := k.G();
      TableAtOwner(s, root, v, level);
      PxIsIdx(level, va);
      TablePage(s, pagetable);
      var i := Px(level, va);
      if k.mem[pagetable].ptes[i].flags.v {
        DownThere(s0.mem, s.mem, root, v, level - 1);
        pagetable := k.mem[pagetable].ptes[i].ppn;
      } else {
        assert TableAt(s.mem, root, v, level - 1) == None;
        if !alloc { return Null; }
        pagetable := NewTable(k, pagetable, i, v);
        if pagetable == 0 { return Null; }
        GrowRoot(s, k.G(), root, root);
        GrowTrans(s0, s, k.G(), root);
        DownStep(s0.mem, s.mem, k.mem[..], root, v, level - 1);
      }
      level := level - 1;
    }
    DownDone(s0.mem, k.mem[..], root, v);
    PxIsIdx(0, va);
    return At(pagetable, Px(0, va));
  }

  // ---- walkaddr

  /** The frame that user-mode address va reaches, 0 if there is none. */
  function UserPage(m: seq<Frame>, r: nat, va: nat): nat {
    if va >= MAXVA then 0 else
    match Lookup(m, r, va / PGSIZE)
    case None => 0
    case Some(e) => if e.flags.u then e.ppn else 0
  }

  /** A non-zero answer is a data frame that this page of this tree owns. */
  lemma UserPageOwned(s: Snap, r: nat, va: nat)
    requires Inv(s) && IsRoot(s, r) && UserPage(s.mem, r, va) != 0
    ensures var c := UserPage(s.mem, r, va);
            && va < MAXVA && c < |s.own| && s.own[c].User? && s.own[c].space == r && s.own[c].vpn == va / PGSIZE
            && IsPage(s.mem[c])
  {
    LookupOwner(s, r, va / PGSIZE);
    assert FrameOk(s, UserPage(s.mem, r, va));
  }

  method Walkaddr(k: Kmem, pagetable: nat, va: uint64) returns (pa: nat)
    requires Inv(k.G()) && IsRoot(k.G(), pagetable)
    modifies k, k.mem
    ensures k.G() == old(k.G()) && pa == UserPage(k.mem[..], pagetable, va)
  {
    if va >= MAXVA { return 0; }
    var pte := Walk(k, pagetable, va, false);
    if pte == Null { return 0; }
    TableAtOwner(k.G(), pagetable, va / PGSIZE, 0);
    assert FrameOk(k.G(), pte.t);
    var e := k.mem[pte.t].ptes[pte.i];
    assert e == Entry(k.mem[..], pte.t, Idx(0, va / PGSIZE));
    if !e.flags.v { return 0; }
    if !e.flags.u { return 0; }
    return e.ppn;
  }

  // ---- mappages

  /** Frames change hands only from free to page-table page of tree r, or, if `take`,
      from held to user page v0, v0 + 1, ... for the n frames from ppn on; other
      frames in use, except tree r's page-table pages, keep their contents. */
  ghost predicate MapFrames(s: Snap, s': Snap, r: nat, v0: nat, n: nat, ppn: nat, take: bool) {
    && |s'.own| == |s.own| == |s.mem| == |s'.mem| && s'.lo == s.lo
    && (forall f :: 0 <= f < |s.own| ==>
          if take && ppn <= f < ppn + n then
            s.own[f] == Held && s'.own[f].User? && s'.own[f].space == r && s'.own[f].vpn == v0 + f - ppn
          else s'.own[f] == s.own[f] || (s.own[f] == Free && IsTab(s'.own[f], r)))
    && (forall f :: 0 <= f < |s.own| && s.own[f] != Free && !IsTab(s.own[f], r) ==> s'.mem[f] == s.mem[f])
  }

  /** The map of tree r gained exactly the n pages from v0 on, mapped with perm to the
      consecutive frames from ppn on; every other page of every tree is as before. */
  ghost predicate MapAdded(s: Snap, s': Snap, r: nat, v0: nat, n: nat, ppn: nat, perm: Flags) {
    forall r2, v :: IsRoot(s, r2) && 0 <= v < MAXVPN ==>
      Lookup(s'.mem, r2, v) == if r2 == r && v0 <= v < v0 + n then Some(Pte(ppn + v - v0, perm.(v := true)))
      else Lookup(s.mem, r2, v)
  }

  ghost predicate Mapping(s: Snap, s': Snap, r: nat, v0: nat, n: nat, ppn: nat, perm: Flags, take: bool) {
    MapFrames(s, s', r, v0, n, ppn, take) && MapAdded(s, s', r, v0, n, ppn, perm)
  }

  lemma MappingRoot(s: Snap, s': Snap, r: nat, v0: nat, n: nat, ppn: nat, perm: Flags, take: bool)
    requires Mapping(s, s', r, v0, n, ppn, perm, take)
    ensures forall r2 :: IsRoot(s, r2) ==> IsRoot(s', r2)
    ensures forall f :: 0 <= f < |s.own| && s.own[f] != Free && !(take && ppn <= f < ppn + n) ==> s'.own[f] == s.own[f]
  {
  }

  /** Growing the tree after mapping n pages. */
  lemma MapGrow(s: Snap, s1: Snap, s2: Snap, r: nat, v0: nat, n: nat, ppn: nat, perm: Flags, take: bool)
    requires Mapping(s, s1, r, v0, n, ppn, perm, take) && Grow(s1, s2, r)
    ensures Mapping(s, s2, r, v0, n, ppn, perm, take)
  {
    MappingRoot(s, s1, r, v0, n, ppn, perm, take);
    assert MapFrames(s, s2, r, v0, n, ppn, take) by {
      forall f | 0 <= f < |s.own| && s.own[f] != Free && !IsTab(s.own[f], r) ensures s2.mem[f] == s.mem[f] {
        assert s1.own[f] != Free && !IsTab(s1.own[f], r);
      }
    }
  }

  /** Page v0 + n, unmapped so far, gets its entry. */
  lemma MapOne(s: Snap, s2: Snap, r: nat, v0: nat, n: nat, ppn: nat, perm: Flags, take: bool, t: nat, i: nat)
    requires Mapping(s, s2, r, v0, n, ppn, perm, take) && IsRoot(s, r) && v0 + n < MAXVPN
    requires Inv(s2) && TableAt(s2.mem, r, v0 + n, 0) == Some(t) && i == Idx(0, v0 + n)
    requires Lookup(s.mem, r, v0 + n) == None && LeafFlags(perm) && ppn + n < |s.own|
    requires if take then s.own[ppn + n] == Held else !perm.u
    ensures HasEntry(s2, t, i) && !Entry(s2.mem, t, i).flags.v && t < |s2.own| && s2.own[t].Tab?
    ensures s2.own[t].root == r && s2.own[t].prefix * 512 + i == v0 + n && ppn + n < |s2.own|
    ensures var s3 := Mapped(s2, t, i, Pte(ppn + n, perm.(v := true)), take);
            Inv(s3) && Mapping(s, s3, r, v0, n + 1, ppn, perm, take)
  {
    hide Inv, MapAdded, MapFrames, TableAt;
    MapOneEntry(s, s2, r, v0, n, ppn, perm, take, t, i);
    TableAtOwner(s2, r, v0 + n, 0);
    TablePage(s2, t);
    PrefixStep(0, v0 + n);
    var e := Pte(ppn + n, perm.(v := true));
    MapKeeps(s2, t, i, e, take);
    LeafWrite(s2, t, i, e);
    var s3 := Mapped(s2, t, i, e, take);
    assert s3.mem == WithEntry(s2, t, i, e).mem;
    MapOneFrames(s, s2, s3, r, v0, n, ppn, take, t);
    assert s2.own[t].root == r && s2.own[t].prefix * 512 + i == v0 + n;
    MapOneAdded(s, s2, s3, r, v0, n, ppn, perm);
  }

  /** A leaf entry is in a level-0 page. */
  lemma LeafTabs(s: Snap, r: nat, v: nat, t: nat, i: nat, e: Pte)
    requires Inv(s) && IsRoot(s, r) && v < MAXVPN && TableAt(s.mem, r, v, 0) == Some(t) && HasEntry(s, t, i)
    ensures SameTabs(s.mem, WithEntry(s, t, i, e).mem, r)
  {
    TableAtOwner(s, r, v, 0);
    SameShape(s, WithEntry(s, t, i, e).mem, r);
  }

  lemma MapOneEntry(s: Snap, s2: Snap, r: nat, v0: nat, n: nat, ppn: nat, perm: Flags, take: bool, t: nat, i: nat)
    requires Mapping(s, s2, r, v0, n, ppn, perm, take) && IsRoot(s, r) && v0 + n < MAXVPN
    requires TableAt(s2.mem, r, v0 + n, 0) == Some(t) && i == Idx(0, v0 + n)
    requires Lookup(s.mem, r, v0 + n) == None && ppn + n < |s.own|
    requires if take then s.own[ppn + n] == Held else !perm.u
    ensures !Entry(s2.mem, t, i).flags.v && |s2.own| == |s.own|
    ensures forall r2 :: IsRoot(s, r2) ==> IsRoot(s2, r2)
    ensures take ==> s2.own[ppn + n] == Held
  {
    assert Lookup(s2.mem, r, v0 + n) == None;
  }

  lemma MapOneAdded(s: Snap, s2: Snap, s3: Snap, r: nat, v0: nat, n: nat, ppn: nat, perm: Flags)
    requires MapAdded(s, s2, r, v0, n, ppn, perm) && IsRoot(s, r)
    requires forall r2 :: IsRoot(s, r2) ==> IsRoot(s2, r2)
    requires forall r2, v :: IsRoot(s2, r2) && 0 <= v < MAXVPN ==>
               Lookup(s3.mem, r2, v) ==
               if r2 == r && v == v0 + n then Some(Pte(ppn + n, perm.(v := true))) else Lookup(s2.mem, r2, v)
    ensures MapAdded(s, s3, r, v0, n + 1, ppn, perm)
  {
    hide TableAt, Lookup;
  }

  lemma MapOneFrames(s: Snap, s2: Snap, s3: Snap, r: nat, v0: nat, n: nat, ppn: nat, take: bool, t: nat)
    requires MapFrames(s, s2, r, v0, n, ppn, take) && ppn + n < |s.own| && t < |s.own| && IsTab(s2.own[t], r)
    requires take ==> s.own[ppn + n] == Held
    requires s3.lo == s2.lo && |s3.own| == |s2.own| && |s3.mem| == |s2.mem|
    requires s3.own == if take then s2.own[ppn + n := User(r, v0 + n, t)] else s2.own
    requires forall f :: 0 <= f < |s2.mem| && f != t ==> s3.mem[f] == s2.mem[f]
    ensures MapFrames(s, s3, r, v0, n + 1, ppn, take)
  {
    assert forall f :: 0 <= f < |s.own| && s.own[f] != Free && !IsTab(s.own[f], r) ==> f != t;
  }

  method Mappages(k: Kmem, pagetable: nat, va: uint64, size: uint64, pa: nat, perm: Flags, ghost take: bool)
    returns (r: int, ghost done: nat)
    requires Inv(k.G()) && IsRoot(k.G(), pagetable) && LeafFlags(perm)
    requires size > 0            // panic("mappages: size")
    requires va + size <= MAXVA  // panic("walk")
    requires forall v :: va / PGSIZE <= v <= (va + size - 1) / PGSIZE ==>
               && Lookup(k.mem[..], pagetable, v) == None  // panic("mappages: remap")
               && pa + v - va / PGSIZE < |k.own|
               && if take then k.own[pa + v - va / PGSIZE] == Held else !perm.u
    modifies k, k.mem
    ensures Inv(k.G()) && Mapping(old(k.G()), k.G(), pagetable, va / PGSIZE, done, pa, perm, take)
    ensures r == 0 ==> done == (va + size - 1) / PGSIZE - va / PGSIZE + 1
    ensures r != 0 ==> r == -1 && done <= (va + size - 1) / PGSIZE - va / PGSIZE && k.free == []
    ensures var need := NewTables(old(k.mem[..]), pagetable, va / PGSIZE, (va + size - 1) / PGSIZE - va / PGSIZE + 1);
            (r == 0 <==> need <= |old(k.free)|) && (r == 0 ==> |k.free| == |old(k.free)| - need)
    ensures r == 0 ==> Laid(old(k.mem[..]), k.mem[..], pagetable, va / PGSIZE, done)
  {
    hide Inv, Grow, Mapping, TableAt, Laid, SameTabs, NewTables, Missing, PgRoundDown;
    PageOf(va);
    PageOf(va + size - 1);
    var a: uint64 := PgRoundDown(va);
    var last: uint64 := PgRoundDown(va + size - 1);
    var p := pa;
    done := 0;
    ghost var s0, v0, n := k.G(), va / PGSIZE, (va + size - 1) / PGSIZE - va / PGSIZE + 1;
    MapNone(s0, pagetable, v0, pa, perm, take);
    LaidNone(s0.mem, pagetable, v0);
    NewNone(s0.mem, pagetable, v0);
    while true
      invariant a == (v0 + done) * PGSIZE && done < n && p == pa + done
      invariant Inv(k.G()) && Mapping(s0, k.G(), pagetable, v0, done, pa, perm, take)
      invariant Laid(s0.mem, k.mem[..], pagetable, v0, done)
      invariant |k.free| == |s0.free| - NewTables(s0.mem, pagetable, v0, done)
      decreases last - a
    {
      ghost var s1 := k.G();
      MappingRoot(s0, s1, pagetable, v0, done, pa, perm, take);
      NextCost(s0.mem, s1.mem, pagetable, v0, done);
      NewGrows(s0.mem, pagetable, v0, done + 1, n);
      var pte := Walk(k, pagetable, a, true);
      ghost var s2 := k.G();
      MapGrow(s0, s1, s2, pagetable, v0, done, pa, perm, take);
      if pte == Null {
        return -1, done;
      }
      MapOne(s0, s2, pagetable, v0, done, pa, perm, take, pte.t, pte.i);
      GrowRoot(s1, s2, pagetable, pagetable);
      LeafTabs(s2, pagetable, v0 + done, pte.t, pte.i, Pte(p, perm.(v := true)));
      k.mem[pte.t] := Table(k.mem[pte.t].ptes[pte.i := Pte(p, perm.(v := true))]);
      if take { k.own := k.own[p := User(pagetable, v0 + done, pte.t)]; }
      assert k.G() == Mapped(s2, pte.t, pte.i, Pte(p, perm.(v := true)), take);
      LaidMapped(s0.mem, s1.mem, s2.mem, k.mem[..], pagetable, v0, done);
      done := done + 1;
      if a == last { break; }
      a := a + PGSIZE;
      p := p + 1;
    }
    r := 0;
  }

  lemma PageOf(va: nat)
    ensures PgRoundDown(va) == va / PGSIZE * PGSIZE
  {
  }

  lemma NewNone(m: seq<Frame>, r: nat, v0: nat)
    ensures NewTables(m, r, v0, 0) == 0
  {
  }

  lemma LaidMapped(m: seq<Frame>, m1: seq<Frame>, m2: seq<Frame>, m3: seq<Frame>, r: nat, v0: nat, n: nat)
    requires Laid(m, m1, r, v0, n) && Laid(m1, m2, r, v0 + n, 1) && SameTabs(m2, m3, r)
    ensures Laid(m, m3, r, v0, n + 1)
  {
    SameTabsRefl(m1, r);
    LaidSame(m1, m1, m2, m3, r, v0 + n, 1);
    LaidStep(m, m1, m3, r, v0, n, 1);
  }

  lemma MapNone(s: Snap, r: nat, v0: nat, ppn: nat, perm: Flags, take: bool)
    requires Inv(s)
    ensures Mapping(s, s, r, v0, 0, ppn, perm, take)
  {
  }

  // ---- uvmunmap

  /** The frames that tree r owned at the n pages from v0 on are freed (or, if not
      `doFree`, handed back to the kernel); no other frame changes hands. */
  ghost predicate UnmapFrames(s: Snap, s': Snap, r: nat, v0: nat, n: nat, doFree: bool) {
    && |s'.own| == |s.own| == |s.mem| == |s'.mem| && s'.lo == s.lo
    && (forall f :: 0 <= f < |s.own| ==>
          s'.own[f] ==
          if s.own[f].User? && s.own[f].space == r && v0 <= s.own[f].vpn < v0 + n then (if doFree then Free else Held)
                       else s.own[f])
    && (forall f :: 0 <= f < |s.own| && s'.own[f] != Free && !IsTab(s.own[f], r) ==> s'.mem[f] == s.mem[f])
  }

  /** The map of tree r lost exactly the n pages from v0 on. */
  ghost predicate MapRemoved(s: Snap, s': Snap, r: nat, v0: nat, n: nat) {
    forall r2, v :: IsRoot(s, r2) && 0 <= v < MAXVPN ==>
      Lookup(s'.mem, r2, v) == if r2 == r && v0 <= v < v0 + n then None else Lookup(s.mem, r2, v)
  }

  ghost predicate Unmapping(s: Snap, s': Snap, r: nat, v0: nat, n: nat, doFree: bool) {
    UnmapFrames(s, s', r, v0, n, doFree) && MapRemoved(s, s', r, v0, n)
  }

  lemma UnmapNone(s: Snap, r: nat, v0: nat, doFree: bool)
    requires Inv(s)
    ensures Unmapping(s, s, r, v0, 0, doFree)
  {
  }

  lemma UnmappingRoot(s: Snap, s': Snap, r: nat, v0: nat, n: nat, doFree: bool)
    requires Unmapping(s, s', r, v0, n, doFree)
    ensures |s'.own| == |s.own|
    ensures forall r2 :: IsRoot(s, r2) ==> IsRoot(s', r2)
    ensures IsRoot(s, r) && v0 + n < MAXVPN && Lookup(s.mem, r, v0 + n).Some? ==>
              Lookup(s'.mem, r, v0 + n) == Lookup(s.mem, r, v0 + n)
    ensures IsRoot(s, r) && v0 + n < MAXVPN && Owns(s, r, v0 + n) ==> Owns(s', r, v0 + n)
  {
    hide TableAt, Lookup;
  }

  /** What uvmunmap leaves of one page: the frame freed or handed back, the entry 0. */
  function Dropped(s: Snap, t: nat, i: nat, doFree: bool): Snap
    requires HasEntry(s, t, i) && t < |s.own| && s.own[t].Tab? && |s.own| == |s.mem| && s.mem[t].ptes[i].ppn < |s.own|
  {
    if doFree then Pushed(Unmapped(s, t, i), s.mem[t].ptes[i].ppn) else Unmapped(s, t, i)
  }

  lemma DropOne(s1: Snap, r: nat, v: nat, t: nat, i: nat, doFree: bool)
    requires Inv(s1) && IsRoot(s1, r) && v < MAXVPN && Lookup(s1.mem, r, v).Some?
    requires TableAt(s1.mem, r, v, 0) == Some(t) && i == Idx(0, v)
    requires doFree ==> Owns(s1, r, v)
    ensures HasEntry(s1, t, i) && t < |s1.own| && IsTab(s1.own[t], r) && |s1.own| == |s1.mem|
    ensures Entry(s1.mem, t, i) == s1.mem[t].ptes[i] == Lookup(s1.mem, r, v).value
    ensures s1.mem[t].ptes[i].ppn < |s1.own|
    ensures Entry(s1.mem, t, i).flags != Pointer(0).flags  // panic("uvmunmap: not a leaf")
    ensures doFree ==> s1.lo <= s1.mem[t].ptes[i].ppn && s1.own[s1.mem[t].ptes[i].ppn] == User(r, v, t)
    ensures var s2 := Dropped(s1, t, i, doFree);
            && Inv(s2) && UnmapFrames(s1, s2, r, v, 1, doFree) && MapRemoved(s1, s2, r, v, 1)
  {
    assert |s1.own| == |s1.mem|;
    hide FreeListOk, TableAt, UnmapFrames, MapRemoved;
    LookupOwner(s1, r, v);
    TablePage(s1, t);
    PrefixStep(0, v);
    var c := s1.mem[t].ptes[i].ppn;
    if doFree { UserIsMapped(s1, c); NotKernel(s1, c); }
    LeafWrite(s1, t, i, ZEROPTE);
    UnmapKeeps(s1, t, i);
    assert Unmapped(s1, t, i).mem == WithEntry(s1, t, i, ZEROPTE).mem;
    if doFree { PushKeeps(Unmapped(s1, t, i), c); }
    DropFrames(s1, r, v, t, i, doFree);
    DropMap(s1, r, v, t, i, doFree);
  }

  lemma NotKernel(s: Snap, c: nat)
    requires Inv(s) && c < |s.own| && s.own[c] != Kernel
    ensures s.lo <= c < |s.mem|
  {
  }

  lemma DropMap(s1: Snap, r: nat, v: nat, t: nat, i: nat, doFree: bool)
    requires HasEntry(s1, t, i) && t < |s1.own| && IsTab(s1.own[t], r) && |s1.own| == |s1.mem|
             && s1.mem[t].ptes[i].ppn < |s1.own|
    requires IsRoot(s1, r) && v < MAXVPN && v == s1.own[t].prefix * 512 + i
    requires forall r2, v2 :: IsRoot(s1, r2) && 0 <= v2 < MAXVPN ==>
               Lookup(Unmapped(s1, t, i).mem, r2, v2) == if r2 == r && v2 == v then None else Lookup(s1.mem, r2, v2)
    requires doFree ==> SameMaps(Unmapped(s1, t, i), Dropped(s1, t, i, doFree)) && s1.own[s1.mem[t].ptes[i].ppn].User?
    ensures MapRemoved(s1, Dropped(s1, t, i, doFree), r, v, 1)
  {
    hide Lookup, TableAt;
    forall r2, v2 | IsRoot(s1, r2) && 0 <= v2 < MAXVPN
      ensures Lookup(Dropped(s1, t, i, doFree).mem, r2, v2) == if r2 == r && v <= v2 < v + 1 then None
              else Lookup(s1.mem, r2, v2)
    {
      assert IsRoot(Unmapped(s1, t, i), r2);
    }
  }

  lemma DropFrames(s1: Snap, r: nat, v: nat, t: nat, i: nat, doFree: bool)
    requires Inv(s1) && IsRoot(s1, r) && v < MAXVPN && Lookup(s1.mem, r, v).Some?
    requires TableAt(s1.mem, r, v, 0) == Some(t) && i == Idx(0, v)
    requires HasEntry(s1, t, i) && t < |s1.own| && IsTab(s1.own[t], r) && s1.own[t].prefix * 512 + i == v
    requires Lookup(s1.mem, r, v).value == s1.mem[t].ptes[i] && s1.mem[t].ptes[i].ppn < |s1.own|
    requires doFree ==> s1.own[s1.mem[t].ptes[i].ppn] == User(r, v, t)
    ensures UnmapFrames(s1, Dropped(s1, t, i, doFree), r, v, 1, doFree)
  {
    var c := s1.mem[t].ptes[i].ppn;
    forall f | 0 <= f < |s1.own| && s1.own[f].User? && s1.own[f].space == r && s1.own[f].vpn == v
      ensures f == c && s1.own[f].table == t
    {
      UserIsMapped(s1, f);
    }
    hide Inv, Lookup, TableAt;
  }

  lemma UnmapOne(s: Snap, s1: Snap, s2: Snap, r: nat, v0: nat, n: nat, doFree: bool)
    requires Unmapping(s, s1, r, v0, n, doFree) && Unmapping(s1, s2, r, v0 + n, 1, doFree)
    ensures Unmapping(s, s2, r, v0, n + 1, doFree)
  {
    UnmappingRoot(s, s1, r, v0, n, doFree);
    assert MapRemoved(s, s2, r, v0, n + 1) by { hide UnmapFrames, TableAt, Lookup; }
    assert UnmapFrames(s, s2, r, v0, n + 1, doFree) by { hide MapRemoved; }
  }

  /** The end of uvmunmap's loop body, for the entry i of t that maps page v of tree r. */
  method ClearEntry(k: Kmem, t: nat, i: nat, ghost r: nat, ghost v: nat, doFree: bool)
    requires Inv(k.G()) && IsRoot(k.G(), r) && v < MAXVPN && Lookup(k.mem[..], r, v).Some?
    requires TableAt(k.mem[..], r, v, 0) == Some(t) && i == Idx(0, v)
    requires doFree ==> Owns(k.G(), r, v)
    modifies k, k.mem
    ensures Inv(k.G()) && Unmapping(old(k.G()), k.G(), r, v, 1, doFree)
  {
    ghost var s1 := k.G();
    DropOne(s1, r, v, t, i, doFree);
    UnmappingIs(s1, Dropped(s1, t, i, doFree), r, v, doFree);
    InvFreeList(s1);
    ghost var c := k.mem[t].ptes[i].ppn;
    DroppedIs(s1, t, i, doFree);
    hide Inv, Unmapping, TableAt, Lookup, Owns, FreeListOk, Dropped;
    if doFree {
      var pa := k.mem[t].ptes[i].ppn;
      k.Kfree(pa);
    }
    k.mem[t] := Table(k.mem[t].ptes[i := ZEROPTE]);
    if !doFree && k.own[c] == User(k.own[t].root, k.own[t].prefix * 512 + i, t) { k.own := k.own[c := Held]; }
    assert k.G() == Dropped(s1, t, i, doFree);
  }

  /** The two writes commute: freeing the frame before or after clearing the entry. */
  lemma DroppedIs(s: Snap, t: nat, i: nat, doFree: bool)
    requires HasEntry(s, t, i) && t < |s.own| && s.own[t].Tab? && |s.own| == |s.mem| && s.mem[t].ptes[i].ppn < |s.own|
    requires doFree ==> s.own[s.mem[t].ptes[i].ppn].User?
    ensures var c := s.mem[t].ptes[i].ppn;
            var freed := if doFree then Pushed(s, c) else s;
            Dropped(s, t, i, doFree) ==
            Snap(freed.mem[t := Table(s.mem[t].ptes[i := ZEROPTE])],
                 if doFree then freed.own
                 else if s.own[c] == User(s.own[t].root, s.own[t].prefix * 512 + i, t) then s.own[c := Held] else s.own,
                 freed.free, freed.head, freed.lo)
  {
    if doFree {
      var c := s.mem[t].ptes[i].ppn;
      assert Dropped(s, t, i, doFree).mem == s.mem[c := Run(s.head)][t := Table(s.mem[t].ptes[i := ZEROPTE])];
      assert Dropped(s, t, i, doFree).own == s.own[c := Free];
    }
  }

  method Uvmunmap(k: Kmem, pagetable: nat, va: uint64, npages: uint64, doFree: bool)
    requires Inv(k.G()) && IsRoot(k.G(), pagetable)
    requires va % PGSIZE == 0  // panic("uvmunmap: not aligned")
    requires npages > 0 ==> va + npages * PGSIZE <= MAXVA
    requires forall v :: va / PGSIZE <= v < va / PGSIZE + npages ==>
               && Lookup(k.mem[..], pagetable, v).Some?  // panic("uvmunmap: walk"), panic("uvmunmap: not mapped")
               && (doFree ==> Owns(k.G(), pagetable, v))
    modifies k, k.mem
    ensures Inv(k.G()) && Unmapping(old(k.G()), k.G(), pagetable, va / PGSIZE, npages, doFree)
  {
    hide Inv, Unmapping, TableAt, Lookup, Owns;
    var a: uint64 := va;
    ghost var s0, v0, n := k.G(), va / PGSIZE, 0;
    UnmapNone(s0, pagetable, v0, doFree);
    while a < va + npages * PGSIZE
      invariant 0 <= n <= npages && a == va + n * PGSIZE
      invariant Inv(k.G()) && Unmapping(s0, k.G(), pagetable, v0, n, doFree)
    {
      ghost var s1 := k.G();
      UnmappingRoot(s0, s1, pagetable, v0, n, doFree);
      Surviving(s0, s1, pagetable, v0, n, npages, doFree);
      var pte := Walk(k, pagetable, a, false);
      SomeTable(s1.mem, pagetable, v0 + n);
      ClearEntry(k, pte.t, pte.i, pagetable, v0 + n, doFree);
      UnmapOne(s0, s1, k.G(), pagetable, v0, n, doFree);
      n := n + 1;
      a := a + PGSIZE;
    }
  }

  lemma Surviving(s: Snap, s': Snap, r: nat, v0: nat, n: nat, npages: nat, doFree: bool)
    requires Unmapping(s, s', r, v0, n, doFree) && n < npages && v0 + npages <= MAXVPN && IsRoot(s, r)
    requires forall v :: v0 <= v < v0 + npages ==> Lookup(s.mem, r, v).Some? && (doFree ==> Owns(s, r, v))
    ensures Lookup(s'.mem, r, v0 + n).Some? && (doFree ==> Owns(s', r, v0 + n))
  {
    UnmappingRoot(s, s', r, v0, n, doFree);
  }

  lemma UnmappingIs(s: Snap, s': Snap, r: nat, v0: nat, doFree: bool)
    requires UnmapFrames(s, s', r, v0, 1, doFree) && MapRemoved(s, s', r, v0, 1)
    ensures Unmapping(s, s', r, v0, 1, doFree)
  {
  }

  lemma SomeTable(m: seq<Frame>, r: nat, v: nat)
    ensures Lookup(m, r, v).Some? ==> TableAt(m, r, v, 0).Some?
  {
  }

  lemma InvFreeList(s: Snap)
    requires Inv(s)
    ensures FreeListOk(s)
  {
  }
}
