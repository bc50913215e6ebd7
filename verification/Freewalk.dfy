/** freewalk and uvmfree of vm.c: taking a whole page table apart. */
module Freewalk {
  import opened Types
  import opened Riscv
  import opened Phys
  import opened PhysUpdate
  import opened Kalloc
  import opened Vm
  import opened UserVm

  /** The prefix at level `level + d` of a page-table page with prefix q at `level`. */
  function Up(q: nat, d: nat): nat {
    if d == 0 then q else if d == 1 then q / 512 else q / 262144
  }

  /** A page-table page in the subtree of tree r below and including prefix q at level l. */
  ghost predicate Under(o: Owner, r: nat, l: nat, q: nat) {
    IsTab(o, r) && o.level <= l && Up(o.prefix, l - o.level) == q
  }

  /** As Under, but strictly below, in one of the first n entries. */
  ghost predicate UnderFirst(o: Owner, r: nat, l: nat, q: nat, n: nat) {
    IsTab(o, r) && o.level < l && Up(o.prefix, l - o.level) == q && Up(o.prefix, l - 1 - o.level) < q * 512 + n
  }

  /** While a subtree is being freed, its ancestors `anc` may point to freed frames. */
  ghost predicate InvExcept(s: Snap, anc: set<nat>) {
    && FreeListOk(s)
    && forall f :: 0 <= f < |s.own| && f !in anc ==> FrameOk(s, f)
  }

  /** No level-0 page of tree r has a valid entry. */
  ghost predicate NoLeaves(s: Snap, r: nat) {
    |s.own| == |s.mem| &&
    forall f, i: nat :: 0 <= f < |s.own| && IsTab(s.own[f], r) && s.own[f].level == 0 ==> !Entry(s.mem, f, i).flags.v
  }

  /** t is the only page-table page of its tree, level and prefix. */
  ghost predicate Unique(s: Snap, t: nat)
    requires t < |s.own| && s.own[t].Tab?
  {
    var o := s.own[t];
    forall f ::
      0 <= f < |s.own| && IsTab(s.own[f], o.root) && s.own[f].level == o.level && s.own[f].prefix == o.prefix ==> f == t
  }

  /** What freewalk may be called on, with the ancestors that it leaves dangling. */
  ghost predicate Freeable(s: Snap, t: nat, anc: set<nat>) {
    && InvExcept(s, anc) && t < |s.own| && t !in anc && s.own[t].Tab?
    && NoLeaves(s, s.own[t].root) && Unique(s, t)
    && (s.own[t].level < 2 ==> s.own[t].parent in anc)
    && (forall e :: e in anc ==> e < |s.own| && IsTab(s.own[e], s.own[t].root) && s.own[e].level > s.own[t].level)
  }

  /** Exactly the page-table pages under (r, l, q) were freed; other frames in use kept their contents. */
  ghost predicate FreedUnder(s: Snap, s': Snap, r: nat, l: nat, q: nat) {
    && |s'.own| == |s.own| == |s.mem| == |s'.mem| && s'.lo == s.lo
    && (forall f :: 0 <= f < |s.own| ==> s'.own[f] == if Under(s.own[f], r, l, q) then Free else s.own[f])
    && (forall f :: 0 <= f < |s.own| && s'.own[f] != Free ==> s'.mem[f] == s.mem[f])
  }

  /** The state of freewalk's loop before entry n of t. */
  ghost predicate FreedFirst(s: Snap, s': Snap, t: nat, anc: set<nat>, n: nat)
    requires t < |s.own| && s.own[t].Tab?
  {
    var Tab(r, l, _, q) := s.own[t];
    && |s'.own| == |s.own| == |s.mem| == |s'.mem| && s'.lo == s.lo
    && InvExcept(s', anc + {t}) && FreeListOk(s')
    && (forall f :: 0 <= f < |s.own| ==> s'.own[f] == if UnderFirst(s.own[f], r, l, q, n) then Free else s.own[f])
    && (forall f :: 0 <= f < |s.own| && f != t && s'.own[f] != Free ==> s'.mem[f] == s.mem[f])
    && s'.mem[t].Table? && |s'.mem[t].ptes| == 512
    && (forall j: nat :: j < 512 ==> Entry(s'.mem, t, j) == if j < n then ZEROPTE else Entry(s.mem, t, j))
  }

  lemma FreedNone(s: Snap, t: nat, anc: set<nat>)
    requires Freeable(s, t, anc)
    ensures FreedFirst(s, s, t, anc, 0)
  {
    assert FrameOk(s, t);
    forall f | 0 <= f < |s.own| ensures !UnderFirst(s.own[f], s.own[t].root, s.own[t].level, s.own[t].prefix, 0) {
      if IsTab(s.own[f], s.own[t].root) && s.own[f].level < s.own[t].level {
        UpStep(s.own[f].prefix, s.own[t].level - s.own[f].level);
      }
    }
  }

  lemma UpStep(q: nat, d: nat)
    requires 0 < d <= 2
    ensures Up(q, d) == Up(q, d - 1) / 512
  {
  }

  /** A page-table page below prefix q has its parent there too. */
  lemma UnderParent(s: Snap, f: nat, r: nat, l: nat, q: nat)
    requires f < |s.own| == |s.mem| && FrameOk(s, f) && IsTab(s.own[f], r) && s.own[f].level < l <= 2
    ensures s.own[f].parent < |s.own| && IsTab(s.own[s.own[f].parent], r)
    ensures s.own[s.own[f].parent].level == s.own[f].level + 1
    ensures Up(s.own[f].prefix, l - s.own[f].level) == Up(s.own[s.own[f].parent].prefix, l - s.own[f].level - 1)
    ensures Entry(s.mem, s.own[f].parent, s.own[f].prefix % 512) == Pointer(f)
  {
  }

  /** An empty entry has nothing below it. */
  lemma EmptyBelow(s: Snap, t: nat, anc: set<nat>, n: nat, f: nat)
    requires Freeable(s, t, anc) && s.own[t].level > 0 && n < 512 && f < |s.own|
    requires !Entry(s.mem, t, n).flags.v
    ensures !Under(s.own[f], s.own[t].root, s.own[t].level - 1, s.own[t].prefix * 512 + n)
    decreases if s.own[f].Tab? then 2 - s.own[f].level else 0
  {
    var Tab(r, l, _, q) := s.own[t];
    if Under(s.own[f], r, l - 1, q * 512 + n) {
      assert FrameOk(s, t) && FrameOk(s, f);
      UnderParent(s, f, r, l, q);
      var p := s.own[f].parent;
      if s.own[f].level < l - 1 {
        EmptyBelow(s, t, anc, n, p);
      }
    }
  }

  /** Adding one entry to the freed ones. */
  lemma UnderNext(o: Owner, r: nat, l: nat, q: nat, n: nat)
    requires n < 512 && 0 < l <= 2
    ensures UnderFirst(o, r, l, q, n + 1) <==> UnderFirst(o, r, l, q, n) || Under(o, r, l - 1, q * 512 + n)
  {
    if IsTab(o, r) && o.level < l {
      UpStep(o.prefix, l - o.level);
    }
  }

  lemma FreedSkip(s: Snap, s1: Snap, t: nat, anc: set<nat>, n: nat)
    requires Freeable(s, t, anc) && n < 512 && FreedFirst(s, s1, t, anc, n)
    requires !Entry(s1.mem, t, n).flags.v
    ensures FreedFirst(s, s1, t, anc, n + 1)
  {
    var Tab(r, l, _, q) := s.own[t];
    assert FrameOk(s, t) && EntryOk(s, t, r, l, q, n);
    forall f | 0 <= f < |s.own| ensures UnderFirst(s.own[f], r, l, q, n + 1) <==> UnderFirst(s.own[f], r, l, q, n) {
      if l > 0 {
        UnderNext(s.own[f], r, l, q, n);
        EmptyBelow(s, t, anc, n, f);
      }
    }
  }

  /** The child behind a valid entry can be freed in turn. */
  lemma ChildFreeable(s: Snap, s1: Snap, t: nat, anc: set<nat>, n: nat)
    requires Freeable(s, t, anc) && n < 512 && FreedFirst(s, s1, t, anc, n)
    requires Entry(s1.mem, t, n).flags.v
    ensures var c := Entry(s1.mem, t, n).ppn;
            && s.own[t].level > 0 && Freeable(s1, c, anc + {t}) && Entry(s1.mem, t, n) == Pointer(c)
            && s1.own[c] == Tab(s.own[t].root, s.own[t].level - 1, t, s.own[t].prefix * 512 + n)
  {
    var Tab(r, l, _, q) := s.own[t];
    assert FrameOk(s, t) && EntryOk(s, t, r, l, q, n);
    var c := Entry(s1.mem, t, n).ppn;
    assert s.own[c] == Tab(r, l - 1, t, q * 512 + n);
    assert !UnderFirst(s.own[c], r, l, q, n);
    forall f | 0 <= f < |s1.own| && IsTab(s1.own[f], r) && s1.own[f].level == l - 1 && s1.own[f].prefix == q * 512 + n
      ensures f == c
    {
      assert s.own[f] == s1.own[f];
      assert FrameOk(s, f);
      UnderParent(s, f, r, l, q);
    }
    ChildNoLeaves(s, s1, t, anc, n);
  }

  lemma ChildNoLeaves(s: Snap, s1: Snap, t: nat, anc: set<nat>, n: nat)
    requires Freeable(s, t, anc) && n < 512 && FreedFirst(s, s1, t, anc, n)
    ensures NoLeaves(s1, s.own[t].root)
  {
    var r := s.own[t].root;
    forall f, i: nat | 0 <= f < |s1.own| && IsTab(s1.own[f], r) && s1.own[f].level == 0
      ensures !Entry(s1.mem, f, i).flags.v
    {
      assert s.own[f] == s1.own[f];
      assert !Entry(s.mem, f, i).flags.v;
    }
  }

  lemma FreedStep(s: Snap, s1: Snap, s2: Snap, t: nat, anc: set<nat>, n: nat)
    requires Freeable(s, t, anc) && n < 512 && FreedFirst(s, s1, t, anc, n) && s.own[t].level > 0
    requires Entry(s1.mem, t, n).flags.v
    requires FreedUnder(s1, s2, s.own[t].root, s.own[t].level - 1, s.own[t].prefix * 512 + n)
    requires InvExcept(s2, anc + {t})
    ensures HasEntry(s2, t, n) && FreedFirst(s, WithEntry(s2, t, n, ZEROPTE), t, anc, n + 1)
  {
    var Tab(r, l, _, q) := s.own[t];
    FreedOwners(s, s1, s2, t, anc, n);
    var s3 := WithEntry(s2, t, n, ZEROPTE);
    LeafFreeList(s2, s3);
    forall j: nat | j < 512 ensures Entry(s3.mem, t, j) == if j < n + 1 then ZEROPTE else Entry(s.mem, t, j) {
      assert Entry(s3.mem, t, j) == if j == n then ZEROPTE else Entry(s2.mem, t, j);
    }
    assert FreeListOk(s3);
    hide Freeable, FreeListOk, FreedUnder, UnderFirst;
    assert InvExcept(s3, anc + {t}) by {
      forall f | 0 <= f < |s.own| && f !in anc + {t} ensures FrameOk(s3, f) {
        hide FrameOk;
        DanglingKeeps(s, s2, s3, t, anc, n, f);
      }
    }
    hide FrameOk, InvExcept;
  }

  lemma FreedOwners(s: Snap, s1: Snap, s2: Snap, t: nat, anc: set<nat>, n: nat)
    requires Freeable(s, t, anc) && n < 512 && FreedFirst(s, s1, t, anc, n) && s.own[t].level > 0
    requires FreedUnder(s1, s2, s.own[t].root, s.own[t].level - 1, s.own[t].prefix * 512 + n)
    ensures |s2.own| == |s.own| == |s2.mem| && s2.lo == s.lo && s2.own[t] == s.own[t] && HasEntry(s2, t, n)
            && |s2.mem[t].ptes| == 512
    ensures forall f :: 0 <= f < |s.own| ==>
              s2.own[f] == if UnderFirst(s.own[f], s.own[t].root, s.own[t].level, s.own[t].prefix, n + 1) then Free
              else s.own[f]
    ensures forall f :: 0 <= f < |s.own| && f != t && s2.own[f] != Free ==> s2.mem[f] == s.mem[f]
    ensures forall j: nat :: j < 512 ==> Entry(s2.mem, t, j) == if j < n then ZEROPTE else Entry(s.mem, t, j)
  {
    assert FrameOk(s, t);
    assert s2.mem[t] == s1.mem[t];
    forall j: nat | j < 512 ensures Entry(s2.mem, t, j) == if j < n then ZEROPTE else Entry(s.mem, t, j) {
      assert Entry(s2.mem, t, j) == Entry(s1.mem, t, j);
    }
    forall f | 0 <= f < |s.own|
      ensures s2.own[f] == if UnderFirst(s.own[f], s.own[t].root, s.own[t].level, s.own[t].prefix, n + 1) then Free
              else s.own[f]
    {
      UnderNext(s.own[f], s.own[t].root, s.own[t].level, s.own[t].prefix, n);
    }
  }

  /** Clearing the entry of a freed child leaves the other frames well formed. */
  lemma DanglingKeeps(s: Snap, s2: Snap, s3: Snap, t: nat, anc: set<nat>, n: nat, f: nat)
    requires Freeable(s, t, anc) && n < 512 && s.own[t].level > 0 && InvExcept(s2, anc + {t})
    requires |s2.own| == |s.own| && HasEntry(s2, t, n) && s3 == WithEntry(s2, t, n, ZEROPTE) && s2.own[t] == s.own[t]
    requires forall g :: 0 <= g < |s.own| ==>
               s2.own[g] == if UnderFirst(s.own[g], s.own[t].root, s.own[t].level, s.own[t].prefix, n + 1) then Free
               else s.own[g]
    requires f < |s.own| && f !in anc && f != t
    ensures FrameOk(s3, f)
  {
    var Tab(r, l, _, q) := s.own[t];
    assert FrameOk(s2, f);
    if s2.own[f].Tab? {
      forall j: nat | j < 512 && Entry(s2.mem, f, j).flags.v ensures Entry(s2.mem, f, j).ppn < |s2.own| {
        assert EntryOk(s2, f, s2.own[f].root, s2.own[f].level, s2.own[f].prefix, j);
      }
      UnderNext(s.own[f], r, l, q, n);
      assert s2.own[f].level < 2 && s2.own[f].parent == t ==> s2.own[f].prefix % 512 != n;
    }
    FrameOkFrame(s2, s3, f);
  }

  lemma FreedLast(s: Snap, s1: Snap, t: nat, anc: set<nat>)
    requires Freeable(s, t, anc) && FreedFirst(s, s1, t, anc, 512)
    ensures FreeListOk(s1) && s1.lo <= t < |s1.mem| && s1.own[t] != Free
    ensures FreedUnder(s, Pushed(s1, t), s.own[t].root, s.own[t].level, s.own[t].prefix)
    ensures InvExcept(Pushed(s1, t), anc)
  {
    var Tab(r, l, _, q) := s.own[t];
    var s2 := Pushed(s1, t);
    assert FrameOk(s, t);
    PushList(s1, t);
    forall f | 0 <= f < |s.own| ensures s2.own[f] == if Under(s.own[f], r, l, q) then Free else s.own[f] {
      if IsTab(s.own[f], r) && s.own[f].level < l {
        UpStep(s.own[f].prefix, l - s.own[f].level);
      }
    }
    forall f | 0 <= f < |s2.own| && f !in anc ensures FrameOk(s2, f) {
      if f != t { LastKeeps(s, s1, t, anc, f); }
    }
  }

  lemma LastKeeps(s: Snap, s1: Snap, t: nat, anc: set<nat>, f: nat)
    requires Freeable(s, t, anc) && FreedFirst(s, s1, t, anc, 512) && f < |s.own| && f !in anc && f != t
    ensures FrameOk(Pushed(s1, t), f)
  {
    var Tab(r, l, _, q) := s.own[t];
    var s2 := Pushed(s1, t);
    assert FrameOk(s1, f) && FrameOk(s, t);
    if s1.own[f].Tab? {
      assert s.own[f] == s1.own[f];
      forall j: nat | j < 512 && Entry(s1.mem, f, j).flags.v
        ensures var x := Entry(s1.mem, f, j).ppn;
                x < |s1.own|
                && (s1.own[f].level > 0 || (s1.own[x].User? && s1.own[x].table == f) ==> s2.own[x] == s1.own[x])
      {
        assert EntryOk(s1, f, s1.own[f].root, s1.own[f].level, s1.own[f].prefix, j);
      }
      assert s1.own[f].level < 2 ==> Entry(s1.mem, s1.own[f].parent, s1.own[f].prefix % 512) == Pointer(f);
      assert s1.own[f].level < 2 ==> s1.own[f].parent != t;
    }
    FrameOkFrame(s1, s2, f);
  }

  method Freewalk(k: Kmem, pagetable: nat, ghost anc: set<nat>)
    requires Freeable(k.G(), pagetable, anc)
    modifies k, k.mem
    ensures InvExcept(k.G(), anc)
    ensures var o := old(k.own)[pagetable]; FreedUnder(old(k.G()), k.G(), o.root, o.level, o.prefix)
    decreases k.own[pagetable].level
  {
    hide Freeable, FreedFirst, FreedUnder, FreeListOk, InvExcept;
    ghost var s0 := k.G();
    FreeableTable(s0, pagetable, anc);
    FreedNone(s0, pagetable, anc);
    for i := 0 to 512
      invariant FreedFirst(s0, k.G(), pagetable, anc, i)
    {
      ghost var s1 := k.G();
      FirstTable(s0, s1, pagetable, anc, i);
      var pte := k.mem[pagetable].ptes[i];
      if pte.flags.v { ChildFreeable(s0, s1, pagetable, anc, i); } else { FreedSkip(s0, s1, pagetable, anc, i); }
      if pte.flags.v && !pte.flags.r && !pte.flags.w && !pte.flags.x {
        // this entry points to a lower-level page table
        Freewalk(k, pte.ppn, anc + {pagetable});
        ghost var s2 := k.G();
        FreedStep(s0, s1, s2, pagetable, anc, i);
        k.mem[pagetable] := Table(k.mem[pagetable].ptes[i := ZEROPTE]);
        assert k.G() == WithEntry(s2, pagetable, i, ZEROPTE);
      } else if pte.flags.v {
        assert false;  // panic("freewalk: leaf")
      }
    }
    FreedLast(s0, k.G(), pagetable, anc);
    k.Kfree(pagetable);
  }

  lemma FreeableTable(s: Snap, t: nat, anc: set<nat>)
    requires Freeable(s, t, anc)
    ensures t < |s.own| && s.own[t].Tab? && s.own[t].level <= 2
  {
    assert FrameOk(s, t);
  }

  lemma FirstTable(s: Snap, s1: Snap, t: nat, anc: set<nat>, n: nat)
    requires t < |s.own| && s.own[t].Tab? && FreedFirst(s, s1, t, anc, n) && n < 512
    ensures t < |s1.mem| && s1.mem[t].Table? && |s1.mem[t].ptes| == 512 && s1.mem[t].ptes[n] == Entry(s1.mem, t, n)
  {
  }

  // ---- uvmfree

  /** Everything that belonged to tree r is free; all other frames are untouched. */
  ghost predicate Gone(s: Snap, s': Snap, r: nat) {
    && |s'.own| == |s.own| == |s.mem| == |s'.mem| && s'.lo == s.lo
    && (forall f :: 0 <= f < |s.own| ==> s'.own[f] == if Of(s.own[f], r) then Free else s.own[f])
    && (forall f :: 0 <= f < |s.own| && s'.own[f] != Free ==> s'.mem[f] == s.mem[f])
  }

  /** A tree that maps nothing can be taken apart. */
  lemma EmptyFreeable(s: Snap, r: nat)
    requires Inv(s) && IsRoot(s, r) && forall v :: 0 <= v < MAXVPN ==> Lookup(s.mem, r, v) == None
    ensures Freeable(s, r, {})
    ensures forall f :: 0 <= f < |s.own| ==> (Under(s.own[f], r, 2, 0) <==> IsTab(s.own[f], r))
    ensures forall f :: 0 <= f < |s.own| ==> !(s.own[f].User? && s.own[f].space == r)
  {
    forall f, i: nat | 0 <= f < |s.own| && IsTab(s.own[f], r) && s.own[f].level == 0
      ensures !Entry(s.mem, f, i).flags.v
    {
      assert FrameOk(s, f);
      if i < 512 {
        var v := s.own[f].prefix * 512 + i;
        OwnerTableAt(s, f, v);
        assert Lookup(s.mem, r, v) == None;
      }
    }
    forall f | 0 <= f < |s.own| && IsTab(s.own[f], r)
      ensures Under(s.own[f], r, 2, 0) && (s.own[f].level == 2 ==> f == r)
    {
      assert FrameOk(s, f);
    }
    forall f | 0 <= f < |s.own| ensures !(s.own[f].User? && s.own[f].space == r) {
      if s.own[f].User? { UserIsMapped(s, f); }
    }
  }

  lemma GoneAfter(s: Snap, s1: Snap, s2: Snap, r: nat, n: nat)
    requires Inv(s) && Inv(s1) && IsRoot(s, r) && Unmapping(s, s1, r, 0, n, true)
    requires forall v :: n <= v < MAXVPN ==> Lookup(s.mem, r, v) == None
    requires FreedUnder(s1, s2, r, 2, 0)
    ensures Gone(s, s2, r)
  {
    AllUnmapped(s, s1, r, n);
    EmptyFreeable(s1, r);
    forall f | 0 <= f < |s.own| ensures s2.own[f] == if Of(s.own[f], r) then Free else s.own[f] {
      if s.own[f].User? && s.own[f].space == r {
        UserIsMapped(s, f);
      }
    }
  }

  lemma AllUnmapped(s: Snap, s1: Snap, r: nat, n: nat)
    requires IsRoot(s, r) && Unmapping(s, s1, r, 0, n, true)
    requires forall v :: n <= v < MAXVPN ==> Lookup(s.mem, r, v) == None
    ensures IsRoot(s1, r) && forall v :: 0 <= v < MAXVPN ==> Lookup(s1.mem, r, v) == None
  {
    UnmappingRoot(s, s1, r, 0, n, true);
  }

  /** Frees user memory, then the page-table pages; nothing of the tree is left. */
  method Uvmfree(k: Kmem, pagetable: nat, sz: uint64)
    requires Inv(k.G()) && IsRoot(k.G(), pagetable) && Pages(sz) <= USYSVPN
    requires forall v :: 0 <= v < Pages(sz) ==> Owns(k.G(), pagetable, v)
    requires forall v :: Pages(sz) <= v < MAXVPN ==> Lookup(k.mem[..], pagetable, v) == None
    modifies k, k.mem
    ensures Inv(k.G()) && Gone(old(k.G()), k.G(), pagetable)
  {
    hide Inv, Unmapping, Lookup, TableAt, Freeable, FreedUnder, InvExcept, Gone, Under;
    ghost var s := k.G();
    UnmapNone(s, pagetable, 0, true);
    if sz > 0 {
      OwnsMapped(s, pagetable, Pages(sz));
      Uvmunmap(k, pagetable, 0, PgRoundUp(sz) / PGSIZE, true);
    }
    ghost var s1 := k.G();
    AllUnmapped(s, s1, pagetable, Pages(sz));
    EmptyFreeable(s1, pagetable);
    Freewalk(k, pagetable, {});
    NoneExcepted(k.G());
    GoneAfter(s, s1, k.G(), pagetable, Pages(sz));
  }

  lemma OwnsMapped(s: Snap, r: nat, n: nat)
    requires forall v :: 0 <= v < n ==> Owns(s, r, v)
    ensures forall v :: 0 <= v < n ==> Lookup(s.mem, r, v).Some?
  {
    forall v | 0 <= v < n ensures Lookup(s.mem, r, v).Some? { assert Owns(s, r, v); }
  }

  lemma NoneExcepted(s: Snap)
    ensures InvExcept(s, {}) ==> Inv(s)
  {
  }
}
